/**
 * The loop stream of src/main/java/com/catascopic/template/Stream.java: a view of
 * a sequence of items whose iterator yields, for each item, its index, whether it
 * is the last one, and the item itself. The wrapped collection is modelled as the
 * sequence of items it yields; its own iterator is a position in that sequence.
 */
module Stream {
  import opened Wrappers

  /** Arrays.asList(i, isLast, value). */
  datatype Triple<T> = Triple(index: int, isLast: bool, value: T)

  /** What the wrapped iterator's next() throws when no element is left. */
  datatype IteratorError = NoSuchElement

  const TwoTo31: int := 0x8000_0000

  /** A value of Java's int arithmetic: n wrapped into [-2^31, 2^31). */
  function Int32(n: int): (r: int)
    ensures -TwoTo31 <= r < TwoTo31
    ensures -TwoTo31 <= n < TwoTo31 ==> r == n
  {
    (n + TwoTo31) % 0x1_0000_0000 - TwoTo31
  }

  /** i++ on a Java int keeps the counter equal to the wrapped count. */
  lemma Int32Increment(n: int)
    ensures Int32(Int32(n) + 1) == Int32(n + 1)
  {
    var x := n + TwoTo31;
    var q := x / 0x1_0000_0000;
    assert x == q * 0x1_0000_0000 + x % 0x1_0000_0000;
    if x % 0x1_0000_0000 + 1 < 0x1_0000_0000 {
      assert x + 1 == q * 0x1_0000_0000 + (x % 0x1_0000_0000 + 1);
    } else {
      assert x + 1 == (q + 1) * 0x1_0000_0000;
    }
  }

  /** The triples a traversal yields from position `from` of the items on. */
  function TriplesFrom<T>(items: seq<T>, from: nat): (r: seq<Triple<T>>)
    requires from <= |items|
    decreases |items| - from
    ensures |r| == |items| - from
  {
    if from == |items| then []
    else [Triple(Int32(from), from + 1 == |items|, items[from])] + TriplesFrom(items, from + 1)
  }

  /** The triples a whole traversal yields. */
  function Triples<T>(items: seq<T>): seq<Triple<T>>
  {
    TriplesFrom(items, 0)
  }

  /** The k-th triple of a traversal from `from`: the item at from + k, its index
      counted in Java ints, marked last exactly when it is the final item. */
  lemma {:induction false} TriplesFromAt<T>(items: seq<T>, from: nat, k: nat)
    requires from + k < |items|
    ensures TriplesFrom(items, from)[k] == Triple(Int32(from + k), from + k + 1 == |items|, items[from + k])
    decreases k
  {
    if k > 0 {
      TriplesFromAt(items, from + 1, k - 1);
    }
  }

  /** n items give n triples; triple k carries item k in order, index k (while k fits
      in a Java int), and only the final triple is marked last. */
  lemma TriplesShape<T>(items: seq<T>)
    ensures |Triples(items)| == |items|
    ensures items == [] ==> Triples(items) == []
    ensures forall k :: 0 <= k < |items| ==> Triples(items)[k].value == items[k]
    ensures forall k :: 0 <= k < |items| ==> (Triples(items)[k].isLast <==> k == |items| - 1)
    ensures forall k :: 0 <= k < |items| && k < TwoTo31 ==> Triples(items)[k].index == k
  {
    forall k | 0 <= k < |items|
      ensures Triples(items)[k] == Triple(Int32(k), k + 1 == |items|, items[k])
    {
      TriplesFromAt(items, 0, k);
    }
  }

  /** The anonymous iterator of Stream.iterator(): the wrapped iterator's position
      and the counter `i`. */
  class StreamIterator<T> {
    const items: seq<T>
    var pos: nat
    var i: int
    /** The triples handed out so far. */
    ghost var yielded: seq<Triple<T>>

    ghost predicate Valid()
      reads this
    {
      pos <= |items| && i == Int32(pos) && yielded == Triples(items)[..pos]
    }

    constructor (items: seq<T>)
      ensures Valid() && this.items == items && pos == 0 && i == 0 && yielded == []
    {
      this.items := items;
      pos := 0;
      i := 0;
      yielded := [];
    }

    /** hasNext(): whatever the wrapped iterator says. */
    method HasNext() returns (b: bool)
      requires Valid()
      ensures b <==> |yielded| < |items|
    {
      b := pos < |items|;
    }

    /** next(): the next item with the counter, which then goes up by one, and whether
        the wrapped iterator is now exhausted. */
    method Next() returns (r: Result<Triple<T>, IteratorError>)
      requires Valid()
      modifies this
      ensures Valid()
      ensures old(pos) < |items| ==>
                r == Success(Triples(items)[old(pos)]) && pos == old(pos) + 1 &&
                yielded == old(yielded) + [r.value]
      ensures old(pos) == |items| ==> r == Failure(NoSuchElement) && pos == old(pos) && yielded == old(yielded)
    {
      if pos == |items| {
        return Failure(NoSuchElement);
      }
      var value := items[pos];
      pos := pos + 1;
      TriplesFromAt(items, 0, pos - 1);
      Int32Increment(pos - 1);
      r := Success(Triple(i, pos == |items|, value));
      i := Int32(i + 1);
      yielded := yielded + [r.value];
      assert Triples(items)[..pos] == Triples(items)[..pos - 1] + [Triples(items)[pos - 1]];
    }
  }

  /** A stream over some items. */
  class Stream<T> {
    const items: seq<T>

    constructor (items: seq<T>)
      ensures this.items == items
    {
      this.items := items;
    }

    /** iterator(): each call starts a new traversal, at the first item with index 0. */
    method Iterator() returns (it: StreamIterator<T>)
      ensures fresh(it) && it.Valid() && it.items == items && it.pos == 0 && it.i == 0 && it.yielded == []
    {
      it := new StreamIterator(items);
    }

    /** toString(): "stream of " followed by how the wrapped collection prints, which
        is the parameter `itemsText`. */
    function ToString(itemsText: string): (r: string)
      ensures |r| == |"stream of "| + |itemsText|
      ensures r[..|"stream of "|] == "stream of " && r[|"stream of "|..] == itemsText
    {
      "stream of " + itemsText
    }
  }
}
