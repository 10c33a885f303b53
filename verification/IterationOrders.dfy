/**
 Which processing orders the iteration of the table can bring about.
 */
module IterationOrders {
  import opened Order

  /** path leads from p back to a device that feeds it, one that feeds that one, and so on, and
      does not pass through c on the way. */
  predicate FeedPath(table: seq<Device>, p: Device, c: Device, path: seq<Device>) {
    && path != [] && path[0] == p && Distinct(path)
    && (forall d | d in path :: d in table)
    && (forall i :: 0 <= i < |path| - 1 ==> Feeds(path[i + 1], path[i].id) && path[i] != c)
  }

  predicate LeadsAway(path: seq<Device>, c: Device)
    requires path != []
  {
    path[|path| - 1] == c || !Feeds(path[|path| - 1], c.id)
  }

  /** Somewhere up the line from p is c itself, or a device that does not feed c. */
  ghost predicate CanComeFirst(table: seq<Device>, p: Device, c: Device) {
    exists path :: FeedPath(table, p, c, path) && LeadsAway(path, c)
  }

  /** Some iteration of the same devices puts p before c. */
  ghost predicate SomeOrderPutsFirst(table: seq<Device>, p: Device, c: Device) {
    exists t :: multiset(t) == multiset(table) && Precedes(ProcessingOrder(t), p, c)
  }

  // ---- an iteration that puts p first ----

  function Reversed(ds: seq<Device>): (rs: seq<Device>)
    ensures |rs| == |ds| && forall i :: 0 <= i < |ds| ==> rs[i] == ds[|ds| - 1 - i]
  {
    if ds == [] then [] else Reversed(ds[1..]) + [ds[0]]
  }

  /** The end of the path and c come first, then the rest of the path backwards. */
  function Backwards(path: seq<Device>, c: Device): seq<Device>
    requires path != []
  {
    var n := |path| - 1;
    (if path[n] == c then [c] else [path[n], c]) + Reversed(path[..n])
  }

  lemma InsertAtFront(order: seq<Device>, d: Device)
    requires order != [] && Feeds(order[0], d.id)
    ensures Insert(order, d) == [d] + order
  {
  }

  lemma EndAndConsumer(last: Device, c: Device)
    requires last == c || !Feeds(last, c.id)
    ensures ProcessingOrder([c]) == [c]
    ensures last != c ==> ProcessingOrder([last, c]) == [last, c]
  {
    assert [c][..0] == [] && ProcessingOrder([]) == [];
    assert [last, c][..1] == [last] && [last][..0] == [];
    assert ProcessingOrder([last]) == Insert([], last) == [last];
    assert ProcessingOrder([c]) == Insert([], c) == [c];
  }

  /** After the devices of the path from the i-th on, the i-th is in front and c behind it. */
  lemma {:induction false} FrontOfPath(path: seq<Device>, c: Device)
    requires path != [] && LeadsAway(path, c)
    requires forall i :: 0 <= i < |path| - 1 ==> Feeds(path[i + 1], path[i].id)
    ensures var order := ProcessingOrder(Backwards(path, c)); order != [] && order[0] == path[0] && c in order
    decreases |path|
  {
    var t := Backwards(path, c);
    if |path| == 1 {
      EndAndConsumer(path[0], c);
      assert t == if path[0] == c then [c] else [path[0], c];
    } else {
      FrontOfPath(path[1..], c);
      assert path[..|path| - 1][1..] == path[1..][..|path| - 2];
      assert t == Backwards(path[1..], c) + [path[0]];
      assert t[..|t| - 1] == Backwards(path[1..], c);
      var order := ProcessingOrder(Backwards(path[1..], c));
      assert order[0] == path[1] && Feeds(order[0], path[0].id);
      InsertAtFront(order, path[0]);
      assert ProcessingOrder(t) == Insert(order, path[0]);
    }
  }

  function Without(table: seq<Device>, ds: seq<Device>): seq<Device> {
    if table == [] then []
    else
      var init, d := table[..|table| - 1], table[|table| - 1];
      Without(init, ds) + if d in ds then [] else [d]
  }

  lemma {:induction false} WithoutCounts(table: seq<Device>, ds: seq<Device>, d: Device)
    ensures multiset(Without(table, ds))[d] == if d in ds then 0 else multiset(table)[d]
  {
    if table != [] {
      assert table == table[..|table| - 1] + [table[|table| - 1]];
      WithoutCounts(table[..|table| - 1], ds, d);
    }
  }

  lemma {:induction false} DistinctCounts(ds: seq<Device>, d: Device)
    requires Distinct(ds)
    ensures multiset(ds)[d] == if d in ds then 1 else 0
  {
    if ds != [] {
      var n := |ds| - 1;
      assert ds == ds[..n] + [ds[n]];
      DistinctCounts(ds[..n], d);
    }
  }

  /** A table is the same devices in another order if some of them are taken first. */
  lemma TakenFirst(table: seq<Device>, ds: seq<Device>)
    requires DistinctIds(table) && Distinct(ds) && forall d | d in ds :: d in table
    ensures multiset(ds + Without(table, ds)) == multiset(table)
  {
    forall d
      ensures multiset(ds + Without(table, ds))[d] == multiset(table)[d]
    {
      WithoutCounts(table, ds, d);
      DistinctCounts(ds, d);
      AtMostOnce(table, d);
      assert d in table <==> d in multiset(table);
    }
  }

  lemma BackwardsIsDistinct(table: seq<Device>, p: Device, c: Device, path: seq<Device>)
    requires FeedPath(table, p, c, path) && c in table
    ensures Distinct(Backwards(path, c)) && forall d | d in Backwards(path, c) :: d in table
  {
    var n := |path| - 1;
    var back := Reversed(path[..n]);
    assert forall i :: 0 <= i < n ==> back[i] == path[n - 1 - i];
    assert c !in back && path[n] !in back;
  }

  lemma PathPutsFirst(table: seq<Device>, p: Device, c: Device, path: seq<Device>)
    requires DistinctIds(table) && p in table && c in table && p != c
    requires FeedPath(table, p, c, path) && LeadsAway(path, c)
    ensures SomeOrderPutsFirst(table, p, c)
  {
    var first := Backwards(path, c);
    var t := first + Without(table, first);
    BackwardsIsDistinct(table, p, c, path);
    TakenFirst(table, first);
    FrontOfPath(path, c);
    var order := ProcessingOrder(first);
    var i :| 0 <= i < |order| && order[i] == c;
    assert Precedes(order, p, c);
    assert t[..|first|] == first;
    LaterInsertsKeepPrecedes(t, |first|, p, c);
  }

  // ---- otherwise c stays in front ----

  /** d is p, or feeds it directly or through others. */
  ghost predicate UpTheLine(table: seq<Device>, p: Device, c: Device, d: Device) {
    exists path :: FeedPath(table, p, c, path) && path[|path| - 1] == d
  }

  lemma UpTheLineFeeds(table: seq<Device>, p: Device, c: Device, d: Device)
    requires !CanComeFirst(table, p, c) && UpTheLine(table, p, c, d)
    ensures d != c && Feeds(d, c.id)
  {
    var path :| FeedPath(table, p, c, path) && path[|path| - 1] == d;
    assert !LeadsAway(path, c);
  }

  /** What feeds a device up the line is up the line. */
  lemma FartherUpTheLine(table: seq<Device>, p: Device, c: Device, d: Device, e: Device)
    requires !CanComeFirst(table, p, c) && UpTheLine(table, p, c, d) && e in table && Feeds(e, d.id)
    ensures UpTheLine(table, p, c, e)
  {
    UpTheLineFeeds(table, p, c, d);
    var path :| FeedPath(table, p, c, path) && path[|path| - 1] == d;
    if e in path {
      var i :| 0 <= i < |path| && path[i] == e;
      assert FeedPath(table, p, c, path[..i + 1]);
    } else {
      var longer := path + [e];
      assert FeedPath(table, p, c, longer) && longer[|longer| - 1] == e;
    }
  }

  /** In the order, c comes before everything up the line. */
  ghost predicate ConsumerInFront(table: seq<Device>, p: Device, c: Device, order: seq<Device>) {
    forall i, j :: 0 <= i < |order| && 0 <= j < |order| && order[i] == c && UpTheLine(table, p, c, order[j]) ==> i < j
  }

  /** Where the inserted order has c and a device up the line. */
  lemma InsertedConsumerInFront(table: seq<Device>, p: Device, c: Device, order: seq<Device>, d: Device, i: nat, j: nat)
    requires !CanComeFirst(table, p, c) && ConsumerInFront(table, p, c, order) && forall e | e in order :: e in table
    requires i < |Insert(order, d)| && j < |Insert(order, d)|
    requires Insert(order, d)[i] == c && UpTheLine(table, p, c, Insert(order, d)[j])
    ensures i < j
  {
    var k, longer := InsertionIndex(order, d), Insert(order, d);
    UpTheLineFeeds(table, p, c, longer[j]);
    // if c is the new one, it goes in front of the first device that feeds it
    if i != k {
      assert longer[i] == order[if i < k then i else i - 1];
      if j != k {
        assert longer[j] == order[if j < k then j else j - 1];
      } else if k < |order| {
        // the new one goes in where something up the line from it is
        assert order[k] in order;
        FartherUpTheLine(table, p, c, d, order[k]);
      }
    }
  }

  lemma InsertKeepsConsumerInFront(table: seq<Device>, p: Device, c: Device, order: seq<Device>, d: Device)
    requires !CanComeFirst(table, p, c) && ConsumerInFront(table, p, c, order) && forall e | e in order :: e in table
    ensures ConsumerInFront(table, p, c, Insert(order, d))
  {
    var longer := Insert(order, d);
    forall i, j | 0 <= i < |longer| && 0 <= j < |longer| && longer[i] == c && UpTheLine(table, p, c, longer[j])
      ensures i < j
    {
      InsertedConsumerInFront(table, p, c, order, d, i, j);
    }
  }

  lemma {:induction false} ConsumerStaysInFront(table: seq<Device>, p: Device, c: Device, t: seq<Device>)
    requires !CanComeFirst(table, p, c) && Distinct(t) && forall d | d in t :: d in table
    ensures ConsumerInFront(table, p, c, ProcessingOrder(t))
    decreases |t|
  {
    if t != [] {
      var n := |t| - 1;
      ConsumerStaysInFront(table, p, c, t[..n]);
      forall e
        ensures e in ProcessingOrder(t[..n]) <==> e in t[..n]
      {
        InOrder(t[..n], e);
      }
      InsertKeepsConsumerInFront(table, p, c, ProcessingOrder(t[..n]), t[n]);
    }
  }

  lemma SameDevices(table: seq<Device>, t: seq<Device>)
    requires DistinctIds(table) && multiset(t) == multiset(table)
    ensures Distinct(t) && forall d | d in t :: d in table
  {
    forall i, j | 0 <= i < j < |t|
      ensures t[i] != t[j]
    {
      SameCountsSameDistinctness(table, t, i, j);
    }
    assert forall d | d in t :: d in multiset(t);
  }

  lemma OrderPutsConsumerFirst(table: seq<Device>, p: Device, c: Device, t: seq<Device>)
    requires DistinctIds(table) && Wire(table, p, c) && !CanComeFirst(table, p, c) && multiset(t) == multiset(table)
    ensures !Precedes(ProcessingOrder(t), p, c)
  {
    SameDevices(table, t);
    ConsumerStaysInFront(table, p, c, t);
    assert FeedPath(table, p, c, [p]) && [p][0] == p;
  }

  /** A producer p can be processed before its consumer c, in some iteration order of the table, if
      and only if somewhere up the line from p is c itself or a device that does not feed c. */
  lemma ProducerFirstIff(table: seq<Device>, p: Device, c: Device)
    requires DistinctIds(table) && Wire(table, p, c)
    ensures SomeOrderPutsFirst(table, p, c) <==> CanComeFirst(table, p, c)
  {
    if CanComeFirst(table, p, c) {
      var path :| FeedPath(table, p, c, path) && LeadsAway(path, c);
      PathPutsFirst(table, p, c, path);
    } else {
      forall t | multiset(t) == multiset(table)
        ensures !Precedes(ProcessingOrder(t), p, c)
      {
        OrderPutsConsumerFirst(table, p, c, t);
      }
    }
  }
}
