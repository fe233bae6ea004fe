/** The queue of blocks waiting to be written: a linked list kept in block order, with a shortcut for
    insertions that come in sequence. */
module WriteQueue {
  import opened Words

  /** Where the bytes of a queued chunk come from: a buffer, or `len` bytes of a file from `offset`. */
  datatype Source = Memory(data: seq<byte>) | FileChunk(file: seq<byte>, offset: nat, len: nat)

  datatype Item = Item(block: u32, source: Source)

  // ----- the list as a value -----

  ghost predicate Sorted(items: seq<Item>) {
    forall i, j :: 0 <= i < j < |items| ==> items[i].block <= items[j].block
  }

  /** The first index from k on whose block is not below b. */
  function Position(items: seq<Item>, b: u32, k: nat): (p: nat)
    requires k <= |items|
    ensures k <= p <= |items|
    ensures forall i :: k <= i < p ==> items[i].block < b
    ensures p < |items| ==> b <= items[p].block
    decreases |items| - k
  {
    if k < |items| && items[k].block < b then Position(items, b, k + 1) else k
  }

  /** Where a search from the head puts x: in front of a head that is above it, otherwise after the head and
      before the first later block that is not below it. */
  function Index(items: seq<Item>, x: Item): (p: nat)
    ensures p <= |items|
  {
    if items == [] || items[0].block > x.block then 0 else Position(items, x.block, 1)
  }

  function Splice<T>(s: seq<T>, p: nat, x: T): (r: seq<T>)
    requires p <= |s|
    ensures |r| == |s| + 1 && r[p] == x
    ensures forall i :: 0 <= i < p ==> r[i] == s[i]
    ensures forall i :: p < i < |r| ==> r[i] == s[i - 1]
    ensures forall i :: p <= i < |s| ==> r[i + 1] == s[i]
    ensures multiset(r) == multiset(s) + multiset{x}
  {
    assert s[..p] + s[p..] == s;
    s[..p] + [x] + s[p..]
  }

  lemma SpliceContains<T>(s: seq<T>, p: nat, x: T, y: T)
    requires p <= |s|
    ensures y == x || y in s ==> y in Splice(s, p, x)
  {
    assert s[..p] + s[p..] == s;
  }

  function Insert(items: seq<Item>, x: Item): (r: seq<Item>)
    ensures multiset(r) == multiset(items) + multiset{x}
  {
    Splice(items, Index(items, x), x)
  }

  lemma {:induction false} InsertedAre(items: seq<Item>, x: Item)
    ensures forall y :: y in Insert(items, x) <==> y == x || y in items
  {
    var r := Insert(items, x);
    hide Insert;
    assert multiset(r) == multiset(items) + multiset{x};
    forall y: Item
      ensures y in r <==> y == x || y in items
    {
      assert y in r <==> y in multiset(r);
      assert y in items <==> y in multiset(items);
    }
  }

  /** No chunk of a file is queued. */
  ghost predicate OnlyBuffers(items: seq<Item>) {
    forall x :: x in items ==> x.source.Memory?
  }

  lemma InsertBuffer(items: seq<Item>, block: u32, data: seq<byte>)
    ensures OnlyBuffers(items) ==> OnlyBuffers(Insert(items, Item(block, Memory(data))))
  {
    InsertedAre(items, Item(block, Memory(data)));
    hide Insert;
  }

  lemma InsertKeepsOrder(items: seq<Item>, x: Item)
    requires Sorted(items)
    ensures Sorted(Insert(items, x))
  {
    IndexFits(items, x);
    SpliceKeepsOrder(items, Index(items, x), x);
    hide Splice, Index, Sorted;
  }

  /** The place is behind blocks that are not above x, and in front of blocks that are not below it. */
  lemma IndexFits(items: seq<Item>, x: Item)
    requires Sorted(items)
    ensures forall i :: 0 <= i < Index(items, x) ==> items[i].block <= x.block
    ensures forall i :: Index(items, x) <= i < |items| ==> x.block <= items[i].block
  {}

  lemma SpliceKeepsOrder(items: seq<Item>, p: nat, x: Item)
    requires Sorted(items) && p <= |items|
    requires forall i :: 0 <= i < p ==> items[i].block <= x.block
    requires forall i :: p <= i < |items| ==> x.block <= items[i].block
    ensures Sorted(Splice(items, p, x))
  {
    hide Splice;
  }

  /** The list after a sequence of insertions. */
  function InsertAll(xs: seq<Item>): seq<Item> {
    if xs == [] then [] else Insert(InsertAll(xs[..|xs| - 1]), xs[|xs| - 1])
  }

  /** After any sequence of insertions the list is in block order and holds exactly the queued items. */
  lemma {:induction false} InsertAllSortsItems(xs: seq<Item>)
    ensures Sorted(InsertAll(xs))
    ensures multiset(InsertAll(xs)) == multiset(xs)
  {
    if xs != [] {
      var front, last := xs[..|xs| - 1], xs[|xs| - 1];
      assert multiset(xs) == multiset(front) + multiset{last} by {
        assert xs == front + [last];
      }
      hide Insert, Sorted;
      InsertAllSortsItems(front);
      InsertKeepsOrder(InsertAll(front), last);
    }
  }

  // ----- buffers that are filled after they are queued -----

  /** The order in which the first n queued items end up, by their numbers. */
  function Order(xs: seq<Item>, n: nat): (order: seq<nat>)
    requires n <= |xs|
    ensures |order| == n == |InsertAll(xs[..n])|
  {
    if n == 0 then []
    else
      assert xs[..n][..n - 1] == xs[..n - 1];
      Splice(Order(xs, n - 1), Index(InsertAll(xs[..n - 1]), xs[n - 1]), n - 1)
  }

  ghost predicate SameBlocks(xs: seq<Item>, ys: seq<Item>) {
    |xs| == |ys| && forall i :: 0 <= i < |xs| ==> xs[i].block == ys[i].block
  }

  lemma {:induction false} OrderSteps(xs: seq<Item>, n: nat)
    requires n < |xs|
    ensures Order(xs, n + 1) == Splice(Order(xs, n), Index(InsertAll(xs[..n]), xs[n]), n)
    ensures InsertAll(xs[..n + 1]) == Splice(InsertAll(xs[..n]), Index(InsertAll(xs[..n]), xs[n]), xs[n])
  {
    assert xs[..n + 1][..n] == xs[..n] && xs[..n + 1][n] == xs[n];
    hide Splice, Index;
  }

  lemma {:induction false} OrderMore(xs: seq<Item>, n: nat, order: seq<nat>, items: seq<Item>, p: nat)
    requires n < |xs| && |order| == |items| == n && p <= n
    requires forall i :: 0 <= i < n ==> order[i] < n && items[i] == xs[order[i]]
    ensures forall i :: 0 <= i <= n ==> Splice(order, p, n)[i] <= n && Splice(items, p, xs[n])[i] == xs[Splice(order, p, n)[i]]
  {
    var order', items' := Splice(order, p, n), Splice(items, p, xs[n]);
    hide Splice;
    forall i | 0 <= i <= n
      ensures order'[i] <= n && items'[i] == xs[order'[i]]
    {
      if i != p {
        var k := if i < p then i else i - 1;
        assert order'[i] == order[k] && items'[i] == items[k];
      }
    }
  }

  lemma {:induction false} OrderIs(xs: seq<Item>, n: nat)
    requires n <= |xs|
    ensures forall i :: 0 <= i < n ==> Order(xs, n)[i] < n && InsertAll(xs[..n])[i] == xs[Order(xs, n)[i]]
  {
    hide *;
    if n > 0 {
      OrderIs(xs, n - 1);
      OrderSteps(xs, n - 1);
      OrderMore(xs, n - 1, Order(xs, n - 1), InsertAll(xs[..n - 1]), Index(InsertAll(xs[..n - 1]), xs[n - 1]));
    }
  }

  lemma {:induction false} SamePosition(xs: seq<Item>, ys: seq<Item>, b: u32, k: nat)
    requires SameBlocks(xs, ys) && k <= |xs|
    ensures Position(xs, b, k) == Position(ys, b, k)
    decreases |xs| - k
  {
    if k < |xs| && xs[k].block < b {
      SamePosition(xs, ys, b, k + 1);
    }
  }

  lemma {:induction false} SameIndex(xs: seq<Item>, ys: seq<Item>, x: Item, y: Item)
    requires SameBlocks(xs, ys) && x.block == y.block
    ensures Index(xs, x) == Index(ys, y) && SameBlocks(Insert(xs, x), Insert(ys, y))
  {
    if xs != [] {
      SamePosition(xs, ys, x.block, 1);
    }
    hide Position;
  }

  lemma {:induction false} SameStep(xs: seq<Item>, ys: seq<Item>, n: nat)
    requires n < |xs| == |ys| && xs[n].block == ys[n].block
    requires Order(xs, n) == Order(ys, n) && SameBlocks(InsertAll(xs[..n]), InsertAll(ys[..n]))
    ensures Order(xs, n + 1) == Order(ys, n + 1) && SameBlocks(InsertAll(xs[..n + 1]), InsertAll(ys[..n + 1]))
  {
    hide *;
    OrderSteps(xs, n);
    OrderSteps(ys, n);
    InsertIs(InsertAll(xs[..n]), xs[n]);
    InsertIs(InsertAll(ys[..n]), ys[n]);
    SameIndex(InsertAll(xs[..n]), InsertAll(ys[..n]), xs[n], ys[n]);
  }

  lemma InsertIs(items: seq<Item>, x: Item)
    ensures Insert(items, x) == Splice(items, Index(items, x), x)
  {}

  lemma SameBlock(xs: seq<Item>, ys: seq<Item>, i: nat)
    requires SameBlocks(xs, ys) && i < |xs|
    ensures i < |ys| == |xs| && xs[i].block == ys[i].block
  {}

  lemma {:induction false} SameStart(xs: seq<Item>, ys: seq<Item>)
    ensures Order(xs, 0) == Order(ys, 0) && SameBlocks(InsertAll(xs[..0]), InsertAll(ys[..0]))
  {
    assert xs[..0] == [] == ys[..0];
  }

  lemma {:induction false} SameOrder(xs: seq<Item>, ys: seq<Item>, n: nat)
    requires SameBlocks(xs, ys) && n <= |xs| == |ys|
    ensures Order(xs, n) == Order(ys, n) && SameBlocks(InsertAll(xs[..n]), InsertAll(ys[..n]))
  {
    hide *;
    if n == 0 {
      SameStart(xs, ys);
    } else {
      SameBlock(xs, ys, n - 1);
      SameOrder(xs, ys, n - 1);
      SameStep(xs, ys, n - 1);
    }
  }

  /** The order depends on the blocks only: a buffer filled after it was queued is written, with the bytes it has by then,
      where it would be had it been queued with those bytes. */
  lemma {:induction false} LaterBytes(xs: seq<Item>, ys: seq<Item>)
    requires SameBlocks(xs, ys)
    ensures Order(xs, |xs|) == Order(ys, |ys|)
    ensures forall i :: 0 <= i < |xs| ==> Order(xs, |xs|)[i] < |xs| && InsertAll(ys)[i] == ys[Order(xs, |xs|)[i]]
  {
    assert ys[..|ys|] == ys;
    hide *;
    SameLengths(xs, ys);
    SameOrder(xs, ys, |xs|);
    OrderIs(ys, |ys|);
  }

  lemma SameLengths(xs: seq<Item>, ys: seq<Item>)
    requires SameBlocks(xs, ys)
    ensures |xs| == |ys|
  {}

  // ----- the linked list -----

  class DataBlock {
    const item: Item
    var next: DataBlock?

    constructor (item: Item)
      ensures this.item == item && next == null
    {
      this.item := item;
      next := null;
    }
  }

  /** The node after the i-th one. */
  ghost function Successor(nodes: seq<DataBlock>, i: nat): DataBlock? {
    if i + 1 < |nodes| then nodes[i + 1] else null
  }

  ghost predicate Chain(nodes: seq<DataBlock>)
    reads nodes
  {
    && (forall i :: 0 <= i < |nodes| ==> nodes[i].next == Successor(nodes, i))
    && (forall i, j :: 0 <= i < j < |nodes| ==> nodes[i] != nodes[j])
  }

  ghost function ItemsOf(nodes: seq<DataBlock>): (items: seq<Item>)
    ensures |items| == |nodes|
    ensures forall i :: 0 <= i < |nodes| ==> items[i] == nodes[i].item
  {
    seq(|nodes|, i requires 0 <= i < |nodes| => nodes[i].item)
  }

  lemma ItemsOfSplice(nodes: seq<DataBlock>, p: nat, x: DataBlock)
    requires p <= |nodes|
    ensures ItemsOf(Splice(nodes, p, x)) == Splice(ItemsOf(nodes), p, x.item)
  {}

  /** The pointer updates of an insertion after db, the node p - 1. */
  method LinkAfter(db: DataBlock, x: DataBlock, ghost nodes: seq<DataBlock>, ghost p: nat)
    requires Chain(nodes) && 0 < p <= |nodes| && db == nodes[p - 1]
    requires x !in nodes && x.next == null
    modifies db, x
    ensures Chain(Splice(nodes, p, x))
  {
    if db.next == null {
      db.next := x;
    } else {
      x.next := db.next;
      db.next := x;
    }
  }

  method LinkFirst(head: DataBlock, x: DataBlock, ghost nodes: seq<DataBlock>)
    requires Chain(nodes) && nodes != [] && head == nodes[0]
    requires x !in nodes
    modifies x
    ensures Chain(Splice(nodes, 0, x))
  {
    x.next := head;
  }

  lemma ChainOfOne(x: DataBlock)
    requires x.next == null
    ensures Chain(Splice([], 0, x))
  {}

  lemma StillQueued(nodes: seq<DataBlock>, x: DataBlock, last: DataBlock?)
    ensures last != null && last in nodes ==> last in Splice(nodes, 0, x)
  {
    if last != null {
      SpliceContains(nodes, 0, x, last);
    }
  }

  lemma SortedAt(items: seq<Item>, i: nat, j: nat)
    requires Sorted(items)
    ensures i <= j < |items| ==> items[i].block <= items[j].block
  {}

  /** A place that fits is the place a search from the head finds. */
  lemma Found(items: seq<Item>, x: Item, p: nat)
    requires Sorted(items) && 1 <= p <= |items| && items[0].block <= x.block
    requires p == 1 || items[p - 1].block < x.block
    requires p == |items| || items[p].block >= x.block
    ensures Index(items, x) == p
  {
    SortedAt(items, Position(items, x.block, 1), p - 1);
  }

  class Queue {
    var dataBlocks: DataBlock?
    var lastUsed: DataBlock?
    ghost var nodes: seq<DataBlock>

    ghost predicate Valid()
      reads this, nodes
    {
      && Chain(nodes)
      && dataBlocks == (if nodes == [] then null else nodes[0])
      && (lastUsed != null ==> lastUsed in nodes)
      && Sorted(ItemsOf(nodes))
    }

    ghost function Items(): seq<Item>
      reads this
    {
      ItemsOf(nodes)
    }

    constructor ()
      ensures Valid() && Items() == [] && nodes == []
    {
      dataBlocks, lastUsed, nodes := null, null, [];
    }

    /** The search loop of queue_db, from the block added last if that one is below x, else from the head. */
    method Search(x: Item, ghost chain: seq<DataBlock>) returns (db: DataBlock, ghost p: nat)
      requires Chain(chain) && Sorted(ItemsOf(chain)) && chain != [] && chain[0].item.block <= x.block
      requires dataBlocks == chain[0] && (lastUsed != null ==> lastUsed in chain)
      ensures 0 < p <= |chain| && db == chain[p - 1] && p == Index(ItemsOf(chain), x)
    {
      db, p := dataBlocks, 1;
      if lastUsed != null && x.block > lastUsed.item.block {
        db := lastUsed;
        ghost var i :| 0 <= i < |chain| && chain[i] == lastUsed;
        p := i + 1;
      }
      while db.next != null && db.next.item.block < x.block
        invariant 0 < p <= |chain| && db == chain[p - 1]
        invariant p == 1 || chain[p - 1].item.block < x.block
        decreases |chain| - p
      {
        db := db.next;
        p := p + 1;
      }
      assert db.next == Successor(chain, p - 1);
      Found(ItemsOf(chain), x, p);
    }

    ghost predicate CanTake(newDb: DataBlock)
      reads this, nodes, newDb
    {
      Valid() && newDb !in nodes && newDb.next == null
    }

    /** The list as it is once x has its place p. */
    ghost predicate Queued(before: seq<DataBlock>, p: nat, x: DataBlock)
      requires p <= |before|
      reads this, nodes
    {
      && Chain(nodes) && nodes == Splice(before, p, x)
      && dataBlocks == nodes[0] && (lastUsed != null ==> lastUsed in nodes)
    }

    method PutFirst(newDb: DataBlock)
      requires CanTake(newDb) && nodes != []
      modifies this, newDb
      ensures Queued(old(nodes), 0, newDb)
    {
      ghost var before := nodes;
      StillQueued(before, newDb, lastUsed);
      hide Chain, Sorted, ItemsOf, Splice;
      nodes := Splice(nodes, 0, newDb);
      var head := dataBlocks;
      dataBlocks := newDb;
      LinkFirst(head, newDb, before);
    }

    method PutAfter(newDb: DataBlock)
      requires CanTake(newDb) && nodes != [] && nodes[0].item.block <= newDb.item.block
      modifies this, nodes, newDb
      ensures Queued(old(nodes), Index(old(Items()), newDb.item), newDb)
    {
      ghost var before := nodes;
      hide Chain, Sorted, ItemsOf, Splice, Index;
      var db;
      ghost var p;
      db, p := Search(newDb.item, before);
      SpliceContains(before, p, newDb, newDb);
      nodes := Splice(nodes, p, newDb);
      lastUsed := newDb;
      LinkAfter(db, newDb, before, p);
    }

    /** queue_db: the list is the one a search from the head gives, wherever the search started. */
    method QueueDb(newDb: DataBlock)
      requires CanTake(newDb)
      modifies this, nodes, newDb
      ensures Valid()
      ensures nodes == Splice(old(nodes), Index(old(Items()), newDb.item), newDb)
      ensures Items() == Insert(old(Items()), newDb.item)
    {
      ghost var p := Index(Items(), newDb.item);
      InsertKeepsOrder(Items(), newDb.item);
      ItemsOfSplice(nodes, p, newDb);
      assert nodes == [] || nodes[0].item.block > newDb.item.block ==> p == 0;
      assert Insert(Items(), newDb.item) == ItemsOf(Splice(nodes, p, newDb));
      hide Chain, Sorted, ItemsOf, Insert, Index, Splice;
      if dataBlocks == null {
        nodes := Splice(nodes, p, newDb);
        dataBlocks := newDb;
        ChainOfOne(newDb);
      } else if dataBlocks.item.block > newDb.item.block {
        PutFirst(newDb);
      } else {
        PutAfter(newDb);
      }
    }
  
    method QueueDataBlock(data: seq<byte>, block: u32)
      requires Valid()
      modifies this, nodes
      ensures Valid() && Items() == Insert(old(Items()), Item(block, Memory(data)))
      ensures forall n :: n in nodes ==> n in old(nodes) || fresh(n)
    {
      var db := new DataBlock(Item(block, Memory(data)));
      ghost var before := nodes;
      QueueDb(db);
      SpliceElements(before, Index(old(Items()), db.item), db);
    }

    method QueueDataFile(file: seq<byte>, offset: nat, len: nat, block: u32)
      requires Valid()
      modifies this, nodes
      ensures Valid() && Items() == Insert(old(Items()), Item(block, FileChunk(file, offset, len)))
      ensures forall n :: n in nodes ==> n in old(nodes) || fresh(n)
    {
      var db := new DataBlock(Item(block, FileChunk(file, offset, len)));
      ghost var before := nodes;
      QueueDb(db);
      SpliceElements(before, Index(old(Items()), db.item), db);
    }
  }

  lemma SpliceElements<T>(s: seq<T>, p: nat, x: T)
    requires p <= |s|
    ensures forall y :: y in Splice(s, p, x) ==> y == x || y in s
  {}
}
