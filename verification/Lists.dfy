/** The circular doubly linked lists of list.h. */
module Lists {

  /** A `list_head` embedded in a struct; `container` is what `container_of` finds. */
  class ListHead<T> {
    var next: ListHead<T>
    var prev: ListHead<T>
    const container: T

    /** `INIT_LIST_HEAD`. */
    constructor (container: T)
      ensures this.container == container && next == this && prev == this
    {
      this.container := container;
      next, prev := this, this;
    }
  }

  /** The nodes of `r`, in order, form one circular list. */
  ghost predicate Ring<T>(r: seq<ListHead<T>>)
    reads r
  {
    && r != []
    && (forall i, j | 0 <= i < j < |r| :: r[i] != r[j])
    && (forall i {:trigger r[i].next} | 0 <= i < |r| - 1 :: r[i].next == r[i+1])
    && (forall i {:trigger r[i].prev} | 1 <= i < |r| :: r[i].prev == r[i-1])
    && r[|r|-1].next == r[0] && r[0].prev == r[|r|-1]
  }

  function After<T>(r: seq<T>, k: nat): T
    requires k < |r|
  {
    if k + 1 < |r| then r[k+1] else r[0]
  }

  function InsertAt<T>(r: seq<T>, k: nat, xs: seq<T>): seq<T>
    requires k < |r|
  {
    r[..k+1] + xs + r[k+1..]
  }

  /** What splicing a circular list moves: everything behind the head, or the head
      itself when it is alone. */
  function Payload<T>(inner: seq<T>): seq<T>
    requires inner != []
  {
    if |inner| == 1 then inner else inner[1..]
  }

  lemma PayloadEnds<T>(inner: seq<T>)
    requires inner != []
    ensures |Payload(inner)| >= 1 && |Payload(inner)| == if |inner| == 1 then 1 else |inner| - 1
    ensures forall i | 0 <= i < |Payload(inner)| :: Payload(inner)[i] == if |inner| == 1 then inner[0] else inner[i+1]
  {}

  lemma InsertedAt<T>(outer: seq<T>, k: nat, xs: seq<T>)
    requires k < |outer|
    ensures var r := InsertAt(outer, k, xs);
      && |r| == |outer| + |xs|
      && (forall i | 0 <= i <= k :: r[i] == outer[i])
      && (forall i | k < i <= k + |xs| :: r[i] == xs[i-k-1])
      && (forall i | k + |xs| < i < |r| :: r[i] == outer[i-|xs|])
  {}

  /** `list` heads the list `inner`, and `prev` and `next` are neighbours in another list. */
  ghost predicate Splicable<T>(list: ListHead<T>, prev: ListHead<T>, next: ListHead<T>,
                               inner: seq<ListHead<T>>, outer: seq<ListHead<T>>, k: nat)
    reads inner, outer
  {
    && Ring(inner) && inner[0] == list
    && Ring(outer) && k < |outer| && prev == outer[k] && next == After(outer, k)
    && forall i, j | 0 <= i < |inner| && 0 <= j < |outer| :: inner[i] != outer[j]
  }

  /** `__list_splice`: what it writes, whatever the nodes are; and if they form two lists, the
      payload of `list` goes between the two neighbours. */
  method SpliceBetween<T>(list: ListHead<T>, prev: ListHead<T>, next: ListHead<T>,
                          ghost inner: seq<ListHead<T>>, ghost outer: seq<ListHead<T>>, ghost k: nat)
    modifies list.next`prev, prev`next, list.prev`next, next`prev
    ensures old(list.prev).next == next && (prev != old(list.prev) ==> prev.next == old(list.next))
    ensures next.prev == old(list.prev) && (next != old(list.next) ==> old(list.next).prev == prev)
    ensures old(Splicable(list, prev, next, inner, outer, k)) ==> k < |outer| && inner != [] && Ring(InsertAt(outer, k, Payload(inner)))
  {
    var first := list.next;
    var last := list.prev;
    first.prev := prev;
    prev.next := first;
    last.next := next;
    next.prev := last;
    if old(Splicable(list, prev, next, inner, outer, k)) {
      ghost var xs, r := Payload(inner), InsertAt(outer, k, Payload(inner));
      PayloadEnds(inner);
      InsertedAt(outer, k, xs);
      hide InsertAt, Payload;
      assert first == xs[0] && last == xs[|xs|-1];
      forall i | 0 <= i < |r| - 1 ensures r[i].next == r[i+1] && r[i+1].prev == r[i] {
        if i < k {
          assert old(outer[i].next) == outer[i+1];
        } else if k < i < k + |xs| {
          assert old(xs[i-k-1].next) == xs[i-k];
        } else if k + |xs| < i {
          assert old(outer[i-|xs|].next) == outer[i-|xs|+1];
        }
      }
      assert r[|r|-1].next == r[0] && r[0].prev == r[|r|-1];
      assert forall i, j | 0 <= i < j < |r| :: r[i] != r[j];
    }
  }

  /** `__list_add` between two neighbours. */
  method AddBetween<T>(n: ListHead<T>, prev: ListHead<T>, next: ListHead<T>, ghost outer: seq<ListHead<T>>, ghost k: nat)
    requires Ring(outer) && k < |outer| && prev == outer[k] && next == After(outer, k)
    requires n !in outer
    modifies n, prev, next
    ensures Ring(InsertAt(outer, k, [n]))
  {
    next.prev := n;
    n.next := next;
    n.prev := prev;
    prev.next := n;
  }

  /** `__list_del`: the neighbours of entry `k` point to each other. */
  method DeleteEntry<T>(entry: ListHead<T>, ghost r: seq<ListHead<T>>, ghost k: nat)
    requires Ring(r) && 1 <= k < |r| && r[k] == entry
    modifies entry.prev, entry.next
    ensures Ring(r[..k] + r[k+1..])
  {
    var prev, next := entry.prev, entry.next;
    next.prev := prev;
    prev.next := next;
  }
}
