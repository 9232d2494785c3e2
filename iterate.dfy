/**
 * Iterate: walks a sequence and hands out each element together with its
 * index and whether another element follows, so that templates can tell the
 * first, the last and the odd/even entries apart.
 */
module Iterate {
  import opened Wrappers

  /** An iteration step: an entry of the walk, or the empty iteration. */
  datatype Iteration<E> =
    | Entry(value: E, index: int, hasNext: bool)
    | Empty

  /** The index of an entry; the empty iteration answers -1. */
  function Index<E>(it: Iteration<E>): (r: int)
    ensures it.Empty? ==> r == -1
    ensures it.Entry? ==> r == it.index
  {
    if it.Entry? then it.index else -1
  }

  /** Whether another entry follows; the empty iteration has none. */
  predicate HasNext<E>(it: Iteration<E>)
    ensures it.Empty? ==> !HasNext(it)
  {
    it.Entry? && it.hasNext
  }

  /** Java's `%` truncates toward zero, so `-1 % 2` is `-1`. */
  function JavaRem(a: int, b: int): (r: int)
    requires b > 0
    ensures -b < r < b
    ensures a >= 0 ==> r == a % b
    ensures a < 0 ==> r == -((-a) % b)
  {
    if a >= 0 then a % b else -((-a) % b)
  }

  /** The first entry is the one at index 0; the empty iteration is not first. */
  predicate IsFirst<E>(it: Iteration<E>)
    ensures it.Empty? ==> !IsFirst(it)
    ensures it.Entry? ==> (IsFirst(it) <==> it.index == 0)
  {
    Index(it) == 0
  }

  /** The last entry is the one with nothing after it; the empty iteration is last. */
  predicate IsLast<E>(it: Iteration<E>)
    ensures it.Empty? ==> IsLast(it)
    ensures it.Entry? ==> (IsLast(it) <==> !it.hasNext)
  {
    !HasNext(it)
  }

  /**
   * Even by Java's remainder: for an index that is not negative this is the
   * usual parity; the empty iteration (index -1) is not even.
   */
  predicate IsEven<E>(it: Iteration<E>)
    ensures Index(it) >= 0 ==> (IsEven(it) <==> Index(it) % 2 == 0)
    ensures Index(it) < 0 ==> (IsEven(it) <==> (-Index(it)) % 2 == 0)
    ensures it.Empty? ==> !IsEven(it)
  {
    JavaRem(Index(it), 2) == 0
  }

  /** Odd is not even, so the empty iteration (index -1) counts as odd. */
  predicate IsOdd<E>(it: Iteration<E>)
    ensures Index(it) >= 0 ==> (IsOdd(it) <==> Index(it) % 2 == 1)
    ensures it.Empty? ==> IsOdd(it)
  {
    !IsEven(it)
  }

  /** The empty iteration is last, not first, and odd (its index is -1). */
  lemma EmptyIteration<E>(e: Iteration<E>)
    requires e.Empty?
    ensures Index(e) == -1 && !HasNext(e)
    ensures !IsFirst(e) && IsLast(e)
    ensures IsOdd(e) && !IsEven(e)
  {
    assert JavaRem(-1, 2) == -1;
  }

  /**
   * The entries a complete walk over `items` produces: the items in order with
   * indices 0 .. n-1; exactly the first is first and exactly the last is last;
   * parity alternates from even.
   */
  function EntriesOf<E>(items: seq<E>): (r: seq<Iteration<E>>)
    ensures |r| == |items|
    ensures forall i | 0 <= i < |r| :: r[i].Entry? && r[i].value == items[i] && Index(r[i]) == i
    ensures forall i | 0 <= i < |r| :: IsFirst(r[i]) <==> i == 0
    ensures forall i | 0 <= i < |r| :: IsLast(r[i]) <==> i == |r| - 1
    ensures forall i | 0 <= i < |r| :: IsEven(r[i]) <==> i % 2 == 0
    ensures forall i | 0 <= i < |r| - 1 :: IsOdd(r[i]) <==> IsEven(r[i + 1])
  {
    seq(|items|, i requires 0 <= i < |items| => Entry(items[i], i, i + 1 < |items|))
  }

  /** The iterator that `Iterate.iterator()` returns over a snapshot of the items. */
  class EntryIterator<E> {
    const items: seq<E>
    var index: nat

    ghost predicate Valid()
      reads this
    {
      index <= |items|
    }

    constructor (items: seq<E>)
      ensures Valid() && this.items == items && index == 0
    {
      this.items := items;
      index := 0;
    }

    function HasNextItem(): (r: bool)
      reads this
      requires Valid()
      ensures r <==> index < |items|
    {
      index < |items|
    }

    /** Hands out the next entry; past the end this is a NoSuchElementException. */
    method Next() returns (r: Result<Iteration<E>>)
      requires Valid()
      modifies this`index
      ensures Valid()
      ensures old(index) < |items| ==>
                r == Ok(EntriesOf(items)[old(index)]) && index == old(index) + 1
      ensures old(index) == |items| ==> r == Err(NoSuchElement) && index == old(index)
    {
      if index == |items| {
        return Err(NoSuchElement);
      }
      var value := items[index];
      r := Ok(Entry(value, index, index + 1 < |items|));
      index := index + 1;
    }
  }

  /** A for-each loop over `Iterate.of(items)`: the entries in the order handed out. */
  method Walk<E>(items: seq<E>) returns (entries: seq<Iteration<E>>)
    ensures entries == EntriesOf(items)
  {
    var it := new EntryIterator(items);
    entries := [];
    while it.HasNextItem()
      invariant it.Valid() && it.items == items
      invariant entries == EntriesOf(items)[..it.index]
      decreases |items| - it.index
    {
      var e := it.Next();
      entries := entries + [e.value];
    }
  }
}
